/**
 * The closed vocabularies of the recommendation service (api/agent.py). Every tag in a
 * validated language-model response is drawn from one of these lists.
 */
module Taxonomy {

  /** Kinds of place. */
  const EntityTypes: seq<string> := [
    "ресторан", "кафе", "бар", "паб", "кофейня", "фудкорт", "уличная еда", "пекарня",
    "кондитерская", "чайный домик", "клуб", "гостиная", "караоке", "книжный магазин",
    "арт-центр", "галерея", "кинотеатр", "антикафе", "мастерская", "студия", "парк",
    "набережная", "площадь", "смотровая площадка", "музей", "памятник", "скульптура",
    "историческое здание", "церковь", "храм", "кафедральный собор", "улица", "бутик",
    "винтажный магазин", "секонд-хенд", "сувенирный магазин", "рынок",
    "концептуальный магазин", "достопримечательность", "укромное место", "внутренний двор"
  ]

  /** Atmosphere of a place. */
  const AtmosphereTags: seq<string> := [
    "уютный", "романтичный", "тихий", "спокойный", "шумный", "энергичный", "домашний",
    "элегантный", "премиум", "богемный", "артхаусный", "хипстерский", "альтернативный",
    "семейный", "детский", "туристический", "популярный", "местный", "аутентичный",
    "ностальгический", "винтажный", "дневной", "вечерний", "ночной"
  ]

  /** Purposes of a visit. */
  const PurposeTags: seq<string> := [
    "свидание", "друзья", "работа", "учеба", "наедине", "бизнес", "празднование",
    "быстрый визит", "фотосъемка", "прогулки", "шоппинг", "осмотр достопримечательностей",
    "обед", "ужин", "завтрак", "поздний завтрак"
  ]

  /** The three price levels. */
  const BudgetLevels: seq<string> := ["бюджетный", "средний", "дорогой"]

  /** Amenities and other features. */
  const Features: seq<string> := [
    "для отдыха на природе", "для домашних животных", "вегетарианец", "веган",
    "живая музыка", "танцы", "Wi-Fi", "парковка", "доступно", "место для курения",
    "алкоголь", "детская комната", "мероприятия", "бесплатный вход", "платный вход",
    "бронирование", "доставка", "еда на вынос"
  ]

  /** The four times of day. */
  const BestTimes: seq<string> := ["утро", "день", "вечер", "ночь"]

  /** Days of the week (used by no check in this model; kept for the record shape). */
  const WorkingDays: seq<string> := ["пн", "вт", "ср", "чт", "пт", "сб", "вс"]
}
